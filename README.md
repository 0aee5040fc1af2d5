# Coworking reservations: a verified model

This project models the request handlers of a coworking-space booking
service. The service has two collections: coworking spaces, each with opening
and closing times, and reservations. Each reservation belongs to a user and a
space and has a `start` and an `end` time.

The model covers three parts:

- **The reservation handlers.** They list reservations by role and create,
  update and delete them. Creation checks in a fixed order: the space exists,
  a non-admin holds fewer than three reservations, the time lies inside the
  space's opening hours, and `start <= end`. Update and delete are open to the
  owner or an admin only.
- **The coworking directory handlers.** The listing removes the control keys
  from the query string and rewrites comparison operators (`gt`, `gte`, `lt`,
  `lte`, `in`) into filter operators. It reads `page` and `limit` with
  defaults, fetches one page and computes the `next` and `prev` links. Get,
  create, update and delete follow the schema.
- **The coworking schema.** It covers the required fields and the trimmed,
  unique name of at most 50 characters. It also covers the cascade that
  deletes a space's reservations when the space is deleted, and the
  `reservations` virtual (the reservations that point at a space).

The store is a class, `Store.Store`, with two maps keyed by document id and a
counter that supplies fresh ids. Its invariant `Valid` says that documents sit
under their own id, that every coworking meets the schema, and that no two
coworkings share a name. Every handler preserves it. `Ordered` says that every
stored reservation starts no later than it ends. Every handler preserves it
too. Each handler is a method that returns the HTTP status it answers and
states the new store in terms of the old one. The status checks of the
reservation handlers (`AddStatus`, `UpdateStatus`, `DeleteStatus`) are
functions whose contracts give the condition for every status they can
answer, in both directions. The schema's validation (`CreateErrors`,
`UpdateErrors`) is a function too: its contract says when each name error is
reported, that a body with no errors is complete, and that an update is never
stricter than a create.

Times are compared with `localeCompare`, modelled as plain lexicographic
order (`Text.Compare`). `Text.ClockOrder` proves that this order is
time-of-day order on zero-padded `"HH:MM"` strings. `Text.UnpaddedTimesMisorder`
shows that without the padding, `"9:00"` sorts after `"10:00"`.

Modules: `Records` (ids, callers, reservations, status codes), `Text`
(trim, `localeCompare`, `parseInt`), `OperatorRewrite` (the operator rewrite
and its inverse), `CoworkingModel` (the schema, the virtual, the cascade
selection), `Store` (the collections and the database operations),
`Reservations` and `Coworkings` (the handlers).

Where the code and its description disagree, the model follows the code:

- An update body's `user` and `coworking` are written to the reservation, so an
  update can move a reservation to another user or another space. The time
  checks still run against the space the reservation had before the update.
- Updating a missing reservation answers 500, not 404. The handler reads the
  reservation's space before it checks that the reservation exists.
- Any caller may fetch any single reservation. `getReservation` has no
  ownership check.
- The joined space never carries a phone number. The `populate` select lists
  name `tel`, but the schema path is `telephone`.
- A missing coworking id answers 400 in the directory, not 404.

## Model

| member | source | states |
|---|---|---|
| Text.Trim | models/Coworking.js:10 | the stored name neither starts nor ends with whitespace, and an already trimmed name is kept as it is |
| Text.TrimIsSlice | models/Coworking.js:10 | the trimmed name is the contiguous part of the input that starts after its leading whitespace |
| Text.TrimRemovesWhitespace | models/Coworking.js:10 | everything trim drops, before and after that part, is whitespace |
| Text.Compare | controllers/reservations.js:109-110 | the comparison returns -1, 0 or 1, and 0 exactly when the strings are equal |
| Text.CompareIsLexicographic | controllers/reservations.js:109-110 | a negative comparison means exactly that the first string is a proper prefix of the second or is smaller at the first difference |
| Text.CompareAntisymmetric | controllers/reservations.js:118 | swapping the operands negates the comparison |
| Text.CompareTransitive | controllers/reservations.js:108-118 | opentime <= start and start <= end give opentime <= end, so the three checks chain |
| Text.CompareAppend | controllers/reservations.js:109-110 | strings with equal-width differing prefixes compare as the prefixes do |
| Text.ClockOrder | controllers/reservations.js:108-118 | on zero-padded "HH:MM" times the comparison is the order of minutes since midnight, in both directions |
| Text.UnpaddedTimesMisorder | controllers/reservations.js:109 | without zero padding "9:00" compares after "10:00" |
| Text.ParseIntShowInt | controllers/coworkings.js:47-48 | parseInt reads back any integer written in decimal, also when non-digit text follows it |
| Text.ParseIntNaN | controllers/coworkings.js:47-48 | text that, after leading whitespace and an optional sign, does not start with a digit parses to NaN |
| OperatorRewrite.RestoreRewrite | controllers/coworkings.js:24-27 | the rewrite loses nothing: removing the added `$` marks gives the original text back |
| OperatorRewrite.RewriteInjective | controllers/coworkings.js:24-27 | different texts never rewrite to the same text, so no two filter keys merge |
| OperatorRewrite.RewriteWord | controllers/coworkings.js:25 | a single word gets a `$` prefix exactly when it is gt, gte, lt, lte or in; every other word is unchanged |
| OperatorRewrite.RewriteAtSeparator | controllers/coworkings.js:25 | the rewrite works word by word and never looks across a separator |
| OperatorRewrite.RewriteNoWords | controllers/coworkings.js:24-27 | text without word characters is copied unchanged |
| CoworkingModel.CreateErrors | models/Coworking.js:6-48 | the name is reported missing exactly when absent or blank after trimming, and too long exactly when over 50 characters after trimming; a body with no errors sets every required path; uniqueness is not a validation error |
| CoworkingModel.UpdateErrors | controllers/coworkings.js:123-126 | update validators check only the paths the body sets: no error exactly when a set name is non-blank and at most 50 characters after trimming and every other set required path is non-empty; the errors are a subset of the create errors, and equal to them on a body that sets every required path |
| CoworkingModel.AddressOnlyUpdate | controllers/coworkings.js:123-126 | an update setting only a non-empty address validates and changes only the address, although a create with that body is refused |
| CoworkingModel.Build | models/Coworking.js:4-49 | a complete body becomes a document under the given id that is well-formed exactly when the body has no validation errors |
| CoworkingModel.WellFormedRoundTrip | models/Coworking.js:6-48 | a well-formed document passes validation and is rebuilt from its own fields unchanged |
| CoworkingModel.NameConstraints | models/Coworking.js:6-12 | a body whose name is missing, blank after trimming, or longer than 50 characters is refused |
| CoworkingModel.Apply | controllers/coworkings.js:123-130 | an update keeps the id, replaces each field the body sets (the name trimmed) and keeps every other field; a valid update of a well-formed document gives a well-formed document |
| CoworkingModel.ApplyCompleteBody | controllers/coworkings.js:123-130 | an update whose body sets every field gives the document a create with that body would give under the same id |
| CoworkingModel.EmptyUpdate | controllers/coworkings.js:123-130 | an update that sets nothing is accepted and changes nothing |
| CoworkingModel.ReservationsOf | models/Coworking.js:68-73 | the virtual holds exactly the reservations whose coworking is the space's id, unchanged |
| CoworkingModel.WithoutSpace | models/Coworking.js:62 | the cascade keeps exactly the reservations of other spaces, unchanged |
| CoworkingModel.CascadePartition | models/Coworking.js:57-65 | the cascade splits the reservations into the space's own, which go, and the rest, which stay; afterwards none points at the space and every other space keeps exactly its reservations |
| CoworkingModel.Select | controllers/reservations.js:12-15 | a projection keeps only fields it names |
| CoworkingModel.JoinedPaths | controllers/reservations.js:12-15 | the listing's join carries only name and province, and the single reservation's join only the name |
| Store.OwnedBy | controllers/reservations.js:97 | a user's reservations are exactly those whose user is that user, in every space |
| Store.Store.constructor | models/Coworking.js:4-54 | an empty store is valid and ordered |
| Store.Store.FindCoworking | controllers/coworkings.js:94 | the lookup finds a space exactly when its id is stored |
| Store.Store.FindReservation | controllers/reservations.js:53 | the lookup finds a reservation exactly when its id is stored |
| Store.Store.CreateCoworking | models/Coworking.js:6-48 | a coworking is inserted under a fresh id exactly when the body validates and the trimmed name is not taken; otherwise the store and the id counter are unchanged and the errors are reported |
| Store.Store.UpdateCoworking | controllers/coworkings.js:123-130 | validators run on the set paths first, then the lookup, then the unique name; only a full success writes the updated document |
| Store.Store.CascadeReservations | models/Coworking.js:57-65 | the hook leaves exactly the reservations of other spaces |
| Store.Store.DeleteCoworking | models/Coworking.js:57-65 | the space's reservations and then the space are removed; nothing else changes |
| Store.Store.CreateReservation | controllers/reservations.js:125 | one fresh reservation is added, the id counter advances, and nothing else changes |
| Store.Store.UpdateReservation | controllers/reservations.js:184-187 | the patched reservation replaces the old one under the same id |
| Store.Store.DeleteReservation | controllers/reservations.js:227 | exactly that reservation is removed |
| Reservations.WithinHoursIsClockOrder | controllers/reservations.js:108-123 | on "HH:MM" times the booking rule is opentime <= start <= end <= closetime in minutes |
| Reservations.AddStatus | controllers/reservations.js:84-123 | 404 exactly for a missing space; 400 exactly when the space exists and the cap refuses or a given time falls outside the hours or out of order; 201 exactly when the space exists, the cap allows it and the times are inside the opening hours in order; 500 exactly when a missing start or end is read |
| Reservations.CapRule | controllers/reservations.js:97-105 | the cap never stops an admin and stops a non-admin holding three or more |
| Reservations.UpdateStatus | controllers/reservations.js:144-182 | 401 exactly for a stranger; 400 exactly when the space exists and a given start is before opening or a given end makes the times leave the hours or their order; 200 exactly when the caller may modify it and the new times pass and the body's coworking id casts; 500 in every other case, a missing reservation first among them |
| Reservations.DeleteStatus | controllers/reservations.js:207-225 | 200 exactly for the owner or an admin on an existing reservation; 404 when missing, 401 for a stranger, 500 for an id that does not cast |
| Reservations.OwnedByInsert | controllers/reservations.js:97-125 | a new reservation raises its user's count by one |
| Reservations.GetReservations | controllers/reservations.js:7-46 | a non-admin gets exactly their own reservations, an admin those of the given space or all; count is the number returned |
| Reservations.GetReservation | controllers/reservations.js:51-75 | an existing reservation is returned with its space's name; a missing one is 404 and a bad id 500 |
| Reservations.AddReservation | controllers/reservations.js:80-137 | the status is AddStatus of the store before; on 201 exactly one reservation is added, owned by the caller, in the path's space; otherwise the store is unchanged; a non-admin never holds more than three after a success |
| Reservations.UpdateReservation | controllers/reservations.js:142-200 | the status is UpdateStatus of the store before; only on 200 is the reservation rewritten with the body's fields |
| Reservations.DeleteReservation | controllers/reservations.js:205-240 | the status is DeleteStatus; on 200 exactly that reservation is removed, otherwise nothing changes |
| Coworkings.WithoutControlKeys | controllers/coworkings.js:11-17 | select, sort, page and limit are removed and every other key is kept with its value |
| Coworkings.StripControlKeys | controllers/coworkings.js:11-17 | the delete loop over the four control keys leaves exactly the query without them |
| Coworkings.RewriteQuery | controllers/coworkings.js:21-30 | every key of the query reaches the filter rewritten, with its rewritten value, and every key of the filter is the rewrite of a key of the query |
| Coworkings.FilterKeys | controllers/coworkings.js:11-30 | no control key reaches the filter, every other key does, rewritten, with its rewritten value, and the filter has no other key |
| Coworkings.FilterOfComparison | controllers/coworkings.js:21-30 | a field with a bracketed operator such as `[gte]` reaches the filter as the same field with `$gte` and the rewritten bound |
| Coworkings.RewriteOneEntry | controllers/coworkings.js:24-27 | a one-operator group gets the operator's `$` form as its key and the rewritten bound as its value |
| Coworkings.PriceAtLeastFive | controllers/coworkings.js:21-30 | `price[gte]=5` reaches the filter as `price: {$gte: "5"}` |
| Coworkings.CommasToSpaces | controllers/coworkings.js:33-41 | every comma of a field list becomes a space and nothing else changes |
| Coworkings.FieldList | controllers/coworkings.js:33-41 | a bracketed group is not a string (the handler throws), an absent or empty parameter selects nothing, and any other string gives its field list with commas as spaces |
| Coworkings.IntParam | controllers/coworkings.js:47-48 | page and limit are never 0; an absent parameter or a group gives the default, and any other value is one parseInt read from the parameter |
| Coworkings.IntParamReadsNumeral | controllers/coworkings.js:47-48 | a numeral is read as its value, and 0 gives the default |
| Coworkings.IntParamNotANumber | controllers/coworkings.js:47-48 | a non-numeric parameter such as "abc" gives the default |
| Coworkings.Window | controllers/coworkings.js:53 | a page holds at most the limit's size, holds all remaining documents up to that size, and in order from the skip |
| Coworkings.Paginate | controllers/coworkings.js:59-71 | next exactly when page*limit is below the total, prev exactly when (page-1)*limit is positive, pointing at page+1 and page-1 with the same limit |
| Coworkings.PaginationLinksUnfiltered | controllers/coworkings.js:59-71 | for a positive page and limit on an unfiltered listing, next is offered exactly when the next page is not empty and prev exactly after page 1 |
| Coworkings.FilteredNextMayBeEmpty | controllers/coworkings.js:51-65 | because the total counts the whole collection, a filtered listing can offer a next page that is empty |
| Coworkings.SecondPageOfFifteen | controllers/coworkings.js:49-71 | 15 spaces with page 2 and limit 10 give the last 5, prev to page 1 and no next |
| Coworkings.Populate | controllers/coworkings.js:30 | every listed space carries exactly the reservations that point at it |
| Coworkings.GetCoworkings | controllers/coworkings.js:6-87 | 200 exactly when select and sort are strings, the skip is not negative and the database accepts the query; otherwise 400 with nothing returned; count is the number returned, at most the limit; the page is the window of the matches from (page-1)*limit; next iff page*limit < the collection's count, prev iff the skip is positive, with page+1 and page-1 |
| Coworkings.GetCoworking | controllers/coworkings.js:92-107 | 200 with the document exactly when the id casts and is stored, otherwise 400 |
| Coworkings.CreateCoworking | controllers/coworkings.js:112-116 | 201 with the built document under a fresh id exactly when the body validates and the name is free; otherwise no response and no change, the id counter included |
| Coworkings.UpdateCoworking | controllers/coworkings.js:121-143 | 200 with the updated document exactly when the id casts and is stored and the body validates with a free name; otherwise 400 and no change |
| Coworkings.DeleteCoworking | controllers/coworkings.js:148-164 | 200 exactly when the id casts and is stored; then the space and exactly its reservations go; otherwise 400 and no change |

## Left out

- HTTP, Express routing, authentication and the server's middleware are not part of this model. The caller's id and role are inputs.
- The database's evaluation of a filter, a projection and a sort order is a parameter of `Coworkings.GetCoworkings` (`find`). The model states what the handler does around it, including the 400 when the database refuses the query (a filter value that does not cast to its path's type, a projection mixing inclusion and exclusion).
- Coworkings.GetCoworkings: a negative `limit` returns up to its absolute value of documents, one batch. A negative skip is refused by the database and answers 400. Both are the database driver's behaviour, taken as given.
- Listing order is not modelled: the reservation listings are maps keyed by id.
- `localeCompare` collation is not modelled. It is plain lexicographic order on characters, which matches time order only for zero-padded "HH:MM" strings.
- `parseInt` is modelled on ASCII digits with an optional sign. It has no floating-point rounding beyond 2^53 and no hexadecimal prefix, since the radix is 10.
- String lengths count characters, not UTF-16 code units, so a name with characters outside the Basic Multilingual Plane is measured differently.
- JSON serialisation of the filter is modelled as a rewrite of every key and string value. Escapes inside JSON strings and array values in the query string are not modelled.
- Request bodies hold strings or nothing. Values of other JSON types (numbers, null, objects) in `start`, `end` or the coworking fields are not modelled.
- A `postalcode` that does not cast to a number is not modelled: the body's postal code is taken as an integer. In the service such a body fails validation on create and answers 400 on update.
- The `postalcode` length limit is not modelled. It is declared on a Number path, where it does not constrain the value.
- The reservation schema is not part of this model. A reservation update writes the body's fields without further validation, except the cast of a `coworking` reference.
- The process-wide handler for unhandled rejections is not modelled. When `createCoworking` refuses a body, that handler closes the server and exits the process (server.js:156-160). The model only records that the request gets no response (`Coworkings.CreateReply.NoReply`).
- Concurrency is not modelled: each request is atomic. This covers the read-then-write race of the cap and a partial failure between the two deletes of the cascade.
- The window rule (a reservation lies inside its space's hours) is not an invariant of the store, because a space's hours can be updated afterwards and a reservation can be moved to another space. Only start <= end is kept, as `Store.Store.Ordered`.
- Logging and the wording of error messages are left out.
- Fresh document ids come from a counter, not from ObjectId generation.
