# Hostel management server: the record store

This project models the part of a small hostel-management web server
(`server.js`) that keeps data. The server stores four collections:
attendance, leave requests, room allotments and warden messages. Each one
lives as a JSON array in its own file inside a data folder. Every route that
touches a collection first calls `ensureFileExists`, which creates the
folder and an empty array file when they are missing. A list route then
reads the whole array and returns it. A submit route reads the whole array,
pushes one record and writes the whole array back. The delete route does the
same with a splice, and writes nothing when its index is out of range. The
server also has two login routes that compare the submitted username and
password with one fixed pair each.

Modules:

- `Numerals` (numerals.dfy): JavaScript's `parseInt` without a radix. It
  skips white space, takes one sign, switches to radix 16 on a `0x`/`0X`
  prefix and reads the longest run of digits; no digits gives NaN (`None`).
  It also holds the decimal text of a non-negative integer, as a template
  literal such as `studentName${i}` writes it for the integers below 10^21
  (here the slot numbers 1 to 5 and list positions).
- `Records` (records.dfy): records as `map<string, string>`. It holds the
  room builder, a method whose `for` loop fills the 20 occupant fields as the
  source's loop does, and the warden-message builder. JavaScript's
  `value || default` is `OrDefault`. A field copied without a default is left
  out of the stored record when it is missing, because JSON serialisation
  drops `undefined` values.
- `Auth` (auth.dfy): the two login checks and the reply each one gives.
  They are functions and read no collection.
- `Store` (store.dfy): the disk as a value. `Disk(folder, files)` holds
  whether the data folder exists and a map from collection to records. A
  collection missing from the map has no file yet. This module also holds
  what ensuring, appending and deleting by position do, with lemmas about
  them.
- `Server` (server.dfy): class `HostelServer`. Its fields `dataFolder` and
  `files` are the disk. Its handler methods follow the source's order:
  ensure, read, change, write. Each one is proved to leave the disk as the
  `Store` function of the old disk says.

`server.js` copies `roomNumber` without a default (server.js:116). A room
submitted without a number is therefore stored without that field, because
`JSON.stringify` drops `undefined` values. The list routes parse the file with
`JSON.parse` and do not check the result. On a malformed file the parse throws
inside the handler, and the request fails. The model stores records, not
text, so that case does not arise in it.

## Model

| member | source | states |
|---|---|---|
| `Store.Ensure` | server.js:23-30 | afterwards the folder and the file exist; a missing file holds the empty list, an existing file keeps its records, and every other collection is unchanged; on a disk where both already exist nothing changes |
| `Store.EnsureIdempotent` | server.js:23-30 | ensuring a collection twice leaves the same disk as ensuring it once |
| `Store.EnsureKeepsContents` | server.js:27-29 | ensuring a collection changes what no collection reads as |
| `Server.HostelServer.EnsureFileExists` | server.js:23-30 | the new disk is `Ensure` of the old one |
| `Server.HostelServer.Startup` | server.js:33 | after the four files are ensured in turn, the folder exists, every collection has a file, existing files keep their records and new ones are empty |
| `Server.HostelServer.List` | server.js:83-86 | a list route (also server.js:97-100, 129-132, 163-166) returns the stored records, or the empty list for a missing file, and leaves the disk as `Ensure` of the old one |
| `Store.Append` | server.js:75-81 | after a submission the collection reads as its old records followed by the submitted one; the folder exists and other collections are unchanged |
| `Server.HostelServer.AppendRecord` | server.js:75-81 | `/submit-attendance` and `/submit-leave` (server.js:89-95) leave the disk as `Append` of the old disk and the submitted body |
| `Store.AppendAllContents` | server.js:77-79 | after any series of submissions the collection reads as its old records followed by the submitted ones in submission order; other collections are unchanged |
| `Store.FreshAppendsRead` | server.js:75-86 | on a store where the collection reads as empty (no file yet, or the empty array after launch), reading after N submissions gives exactly those N records in order, whatever the other collections hold |
| `Records.BuildRoom` | server.js:107-122 | the loop over the five slots plus the room number and furniture fields builds exactly `RoomRecord(body)` |
| `Records.RoomRecordFields` | server.js:115-122 | for every field name, the room record holds it exactly when the field-by-field description does, with the same value: room number as submitted, occupant fields with default "", furniture counts with default "0", nothing else |
| `Records.OccupantKeysExactly` | server.js:108-113 | the names the five loop rounds fill are exactly the known prefixes followed by one digit from 1 to 5 |
| `Records.RoomOccupants` | server.js:108-113 | each of the 20 occupant fields equals the submitted text when that is non-empty and "" otherwise |
| `Records.RoomFurnitureAndNumber` | server.js:115-121 | `chairs`, `tables`, `beds`, `fans` equal the submitted text when non-empty and "0" otherwise; `roomNumber` is present exactly when submitted, with the submitted text |
| `Server.HostelServer.SubmitRoom` | server.js:103-127 | the new disk is `Append` of the old disk and the built room record: the room goes at the end of the rooms list |
| `Store.Splice` | server.js:139 | removing position i gives a list one shorter, the same records before i, the records after i shifted down by one, and the same multiset less the removed record |
| `Store.DeleteAt` | server.js:134-145 | with an index in range the rooms list becomes the splice at that index; otherwise the disk is only ensured and the list is unchanged; other collections are unchanged |
| `Server.HostelServer.DeleteRoom` | server.js:134-145 | reports success exactly when the parsed index is a number with 0 <= index < length, and leaves the disk as `DeleteAt` of the old disk |
| `Store.DeleteByDecimalIndex` | server.js:136-141 | deleting by the decimal text of an in-range position removes the record at that position |
| `Store.DeleteByNegativeIndex` | server.js:138-144 | deleting by a negative index changes no record |
| `Store.DeleteByNonNumericIndex` | server.js:136-144 | deleting by a text with no decimal digit ("NaN", "abc"; `parseInt` gives NaN) only ensures the file and changes no record |
| `Numerals.DecimalString` | server.js:109-112 | for the integers `${i}` renders in plain digits (below 10^21, here the slots 1 to 5), the decimal text of n is a non-empty run of digits with no leading zero |
| `Numerals.DecimalStringValue` | server.js:109 | the digits of the decimal text of n denote n |
| `Numerals.ParseDecimal` | server.js:136 | `parseInt` of the decimal text of n, followed by any text that does not continue the number, gives n |
| `Numerals.ParseNegativeDecimal` | server.js:136 | `parseInt` of a minus sign and the decimal text of n gives -n |
| `Numerals.NoDigitIsNaN` | server.js:136 | `parseInt` of a text holding no decimal digit ("NaN", "abc", "undefined") gives NaN |
| `Numerals.ParseIntNaNExactly` | server.js:136 | `parseInt` gives NaN exactly when, after white space and sign, no decimal digit follows, or a "0x" prefix is followed by no hex digit |
| `Records.WardenMessage` | server.js:152-156 | the message record holds `title` as submitted when non-empty and "" otherwise, `message` exactly when submitted and as submitted, `date` as given, and no other field |
| `Server.HostelServer.SendWardenMessage` | server.js:148-161 | the new disk is `Append` of the old disk and the message record: the message goes at the end of the messages list |
| `Auth.Login` | server.js:56-72 | a login reaches the dashboard exactly when username and password are both present and equal the role's fixed pair ("student"/"1234", "warden"/"5678"); otherwise it answers the role's literal rejection text |
| `Auth.OnePairPerRole` | server.js:56-72 | any two forms that pass the same login carry the same username and password |
| `Auth.RolesExclusive` | server.js:56-72 | no form passes both logins |

## Left out

- Express routing, middleware, body parsing and static page serving (server.js:1-13, 38-53, 169-171). This is framework glue with no logic.
- Real file-system calls. The folder and files are the `dataFolder` and `files` fields. Failures of the file system (permissions, a full disk) are not modelled.
- JSON parsing and the 2-space pretty-printing. Records are stored as maps, so the order of keys in a written object is not modelled, and neither is a malformed file, on which the request fails.
- Body values that are not strings: arrays or nested objects from the extended form parser, and numbers or `null` from a JSON body. Every submitted field is text here.
- The clock: `new Date().toLocaleString()` is the `date` parameter of `SendWardenMessage`.
- Several server processes sharing one data folder, which the source never starts. Within the one process that `app.listen` starts (server.js:169), every file call in a handler is synchronous, so each handler runs to completion before another one starts; the model's handler methods are atomic in the same way.
- Response bodies: confirmation texts, HTML fragments, the redirect script and the HTTP status. Only the success flag of the delete route and the login replies are modelled.
- URL decoding of the `:index` path parameter. `DeleteRoom` receives the decoded text.
- The rounding of very large numbers by `parseInt`. This does not change the delete guard, since such numbers are never below the list length.
